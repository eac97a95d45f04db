/** The cross-shard block DAG of Monosulfide: every block refers to one block of each shard
    (Block/SpiralBlock.go, Monosulfide/MonosulfideChain.go). */
module FideDag {
  import opened BlockTree
  import opened TreeIndex
  import opened Transactions

  // remote is the block of shard i that sub-block i refers to; the body may be missing.
  datatype SubBlock = SubBlock(remote: Hash, txRoot: Hash, body: Option<seq<Transaction>>)

  datatype FideBlock = FideBlock(id: Hash, shard: nat, parent: Hash, subs: seq<SubBlock>, subBlockRoot: Hash) {
    function Ref(i: nat): Hash
      requires i < |subs|
    {
      subs[i].remote
    }
  }

  // All transactions of a block, sub-block after sub-block.
  function Txs(subs: seq<SubBlock>): seq<Transaction> {
    if subs == [] then [] else
      Txs(subs[..|subs| - 1]) + (if subs[|subs| - 1].body.Some? then subs[|subs| - 1].body.value else [])
  }

  // The blocks of all shards; gen is the genesis block they share.
  datatype Dag = Dag(blocks: map<Hash, FideBlock>, gen: Hash, shards: nat, born: map<Hash, nat>) {
    ghost function Tree(): Tree {
      BlockTree.Tree(map h | h in blocks && h != gen :: blocks[h].parent, born)
    }

    // b points, in every slot i, at a stored block of shard i or at the genesis, and at its parent
    // in the slot of its own shard.
    ghost predicate Shaped(b: FideBlock) {
      && b.shard < shards && |b.subs| == shards
      && b.Ref(b.shard) == b.parent
      && forall i: nat | i < shards :: b.Ref(i) in blocks && (b.Ref(i) == gen || blocks[b.Ref(i)].shard == i)
    }

    // The stored blocks form a DAG that arrived in reference order.
    ghost predicate Stored() {
      && shards > 0 && gen in blocks && blocks[gen].shard < shards
      && born.Keys == blocks.Keys
      && WellFormed(Tree())
      && (forall h <- blocks :: blocks[h].id == h)
      && (forall h <- blocks | h != gen :: Shaped(blocks[h]) && OlderRefs(h))
      && (forall h <- born :: born[h] < |blocks|)
    }

    ghost predicate OlderRefs(h: Hash)
      requires h in blocks
    {
      forall i: nat | i < |blocks[h].subs| :: blocks[h].Ref(i) in born && h in born && born[blocks[h].Ref(i)] < born[h]
    }

    // The references of b agree with each other: what a referenced block refers to is on the chain
    // of the corresponding reference of b.
    ghost predicate Consistent(b: FideBlock)
      requires Stored() && Shaped(b)
    {
      forall i: nat, j: nat | i < shards && j < shards && b.Ref(i) != gen ::
        blocks[b.Ref(i)].Ref(j) in Anc(Tree(), b.Ref(j))
    }

    ghost predicate AllConsistent()
      requires Stored()
    {
      forall h <- blocks | h != gen :: Consistent(blocks[h])
    }

    // x is h or can be reached from h by following references.
    ghost predicate Reaches(h: Hash, x: Hash)
      requires Stored() && h in blocks
      decreases born[h]
    {
      x == h || (h != gen && assert Shaped(blocks[h]) && OlderRefs(h);
                 exists i: nat :: i < shards && Reaches(blocks[h].Ref(i), x))
    }

    ghost function Plus(b: FideBlock): Dag {
      Dag(blocks[b.id := b], gen, shards, born[b.id := |blocks|])
    }

    // Each top's references are on the chains of the tops.
    ghost predicate ConsistentCut(tops: seq<Hash>)
      requires Stored() && Tops(tops)
    {
      forall i: nat, j: nat | i < shards && j < shards && tops[i] != gen ::
        blocks[tops[i]].Ref(j) in Anc(Tree(), tops[j])
    }

    // tops[i] is the genesis or a block of shard i.
    ghost predicate Tops(tops: seq<Hash>) {
      |tops| == shards && forall i: nat | i < shards :: tops[i] in blocks && (tops[i] == gen || blocks[tops[i]].shard == i)
    }
  }

  lemma {:induction false} ReachesStored(d: Dag, h: Hash, x: Hash)
    requires d.Stored() && h in d.blocks && d.Reaches(h, x)
    ensures x in d.blocks
    decreases d.born[h]
  {
    if x != h {
      var i: nat :| i < d.shards && d.Reaches(d.blocks[h].Ref(i), x);
      assert d.Shaped(d.blocks[h]) && d.OlderRefs(h);
      ReachesStored(d, d.blocks[h].Ref(i), x);
    }
  }

  // All chains start at the one genesis block.
  lemma {:induction false} GenesisBelow(d: Dag, h: Hash)
    requires d.Stored() && h in d.blocks
    ensures Root(d.Tree(), h) == d.gen && d.gen in Anc(d.Tree(), h)
    decreases d.born[h]
  {
    if h != d.gen {
      GenesisBelow(d, d.blocks[h].parent);
    }
  }

  // A shard's chain stays in its shard.
  lemma {:induction false} ChainOfShard(d: Dag, h: Hash, a: Hash)
    requires d.Stored() && h in d.blocks && a in Anc(d.Tree(), h) && a != d.gen
    ensures a in d.blocks && d.blocks[a].shard == d.blocks[h].shard
    decreases d.born[h]
  {
    if a != h {
      var b := d.blocks[h];
      assert d.Shaped(b);
      assert b.Ref(b.shard) == b.parent;
      if b.parent != d.gen {
        ChainOfShard(d, b.parent, a);
      }
    }
  }

  // Every block in the causal past of h lies on the chain that h refers to in its shard.
  lemma {:induction false} ForkFreePast(d: Dag, h: Hash, x: Hash)
    requires d.Stored() && d.AllConsistent() && h in d.blocks && h != d.gen && d.Reaches(h, x) && x != h
    ensures x in d.blocks && d.blocks[x].shard < d.shards
    ensures d.Shaped(d.blocks[h]) && x in Anc(d.Tree(), d.blocks[h].Ref(d.blocks[x].shard))
    decreases d.born[h]
  {
    ReachesStored(d, h, x);
    var t, b := d.Tree(), d.blocks[h];
    RefsOf(d, h);
    var j := d.blocks[x].shard;
    var i: nat :| i < d.shards && d.Reaches(b.Ref(i), x);
    var r := b.Ref(i);
    hide Dag.Reaches;
    if x == d.gen {
      GenesisBelow(d, b.Ref(j));
    } else {
      RefsOf(d, x);
      if x != r {
        ForkFreePast(d, r, x);
        RefsOf(d, r);
        AncTransitive(t, x, d.blocks[r].Ref(j), b.Ref(j));
      } else {
        assert i == j;
      }
    }
  }

  // What a stored block refers to.
  lemma {:induction false} RefsOf(d: Dag, h: Hash)
    requires d.Stored() && d.AllConsistent() && h in d.blocks && h != d.gen
    ensures d.Shaped(d.blocks[h]) && d.Consistent(d.blocks[h]) && h in d.born
    ensures forall i: nat | i < d.shards :: d.blocks[h].Ref(i) in d.born && d.born[d.blocks[h].Ref(i)] < d.born[h]
  {
    assert d.Shaped(d.blocks[h]) && d.OlderRefs(h);
  }

  // So no block ever has two forked blocks of one shard in its past: of two blocks of the same
  // shard that it reaches, one descends from the other.
  lemma {:induction false} NoForkInPast(d: Dag, h: Hash, x: Hash, y: Hash)
    requires d.Stored() && d.AllConsistent() && h in d.blocks && d.Reaches(h, x) && d.Reaches(h, y)
    requires x in d.blocks && y in d.blocks && d.blocks[x].shard == d.blocks[y].shard
    ensures x in Anc(d.Tree(), y) || y in Anc(d.Tree(), x)
  {
    var t := d.Tree();
    if x == h && y != h {
      InPastOfOwnChain(d, h, y);
    } else if y == h && x != h {
      InPastOfOwnChain(d, h, x);
    } else if x != h && y != h {
      ForkFreePast(d, h, x);
      ForkFreePast(d, h, y);
      AncChain(t, x, y, d.blocks[h].Ref(d.blocks[x].shard));
    }
  }

  lemma {:induction false} InPastOfOwnChain(d: Dag, h: Hash, x: Hash)
    requires d.Stored() && d.AllConsistent() && h in d.blocks && d.Reaches(h, x) && x != h
    requires x in d.blocks && d.blocks[x].shard == d.blocks[h].shard
    ensures x in Anc(d.Tree(), h)
  {
    ForkFreePast(d, h, x);
    assert d.blocks[h].Ref(d.blocks[h].shard) == d.blocks[h].parent;
  }

  lemma {:induction false} PlusTree(d: Dag, b: FideBlock)
    requires d.Stored() && d.Shaped(b) && b.id !in d.blocks
    ensures Grafts(d.Tree(), b.id, b.parent, |d.blocks|) && |d.Plus(b).blocks| == |d.blocks| + 1
    ensures d.Plus(b).Tree() == Graft(d.Tree(), b.id, b.parent, |d.blocks|)
  {
    hide Dag.OlderRefs;
    var t, d' := d.Tree(), d.Plus(b);
    var g := Graft(t, b.id, b.parent, |d.blocks|);
    assert b.Ref(b.shard) == b.parent;
    assert d'.Tree().parent == g.parent by {
      forall h | h in g.parent ensures h in d'.Tree().parent && d'.Tree().parent[h] == g.parent[h] {}
      forall h | h in d'.Tree().parent ensures h in g.parent {}
    }
    assert d'.Tree() == g;
  }

  // A block keeps its shape and the age of its references when another is stored.
  lemma {:induction false} ShapedStays(d: Dag, b: FideBlock, c: FideBlock)
    requires b.id !in d.blocks && d.Shaped(c)
    ensures d.Plus(b).Shaped(c)
  {
    forall i: nat | i < d.shards ensures c.Ref(i) in d.Plus(b).blocks && (c.Ref(i) == d.gen || d.Plus(b).blocks[c.Ref(i)].shard == i) {
      assert c.Ref(i) in d.blocks;
    }
  }

  lemma {:induction false} OlderRefsStay(d: Dag, b: FideBlock, h: Hash)
    requires b.id !in d.blocks && d.born.Keys == d.blocks.Keys && h in d.blocks && d.OlderRefs(h)
    ensures d.Plus(b).OlderRefs(h)
  {
  }

  lemma {:induction false} NewRefsOlder(d: Dag, b: FideBlock)
    requires b.id !in d.blocks && d.born.Keys == d.blocks.Keys && d.Shaped(b) && forall h <- d.born :: d.born[h] < |d.blocks|
    ensures d.Plus(b).OlderRefs(b.id)
  {
  }

  // Storing a fresh, well-shaped block leaves a DAG, and leaves what was stored as it was.
  lemma {:induction false} PlusStored(d: Dag, b: FideBlock)
    requires d.Stored() && d.Shaped(b) && b.id !in d.blocks
    ensures Grafts(d.Tree(), b.id, b.parent, |d.blocks|)
    ensures d.Plus(b).Tree() == Graft(d.Tree(), b.id, b.parent, |d.blocks|)
    ensures d.Plus(b).Stored() && d.Plus(b).Shaped(b)
  {
    hide Dag.Shaped, Dag.OlderRefs, Dag.Tree, WellFormed, Grafts;
    var d' := d.Plus(b);
    PlusTree(d, b);
    GraftWellFormed(d.Tree(), b.id, b.parent, |d.blocks|);
    ShapedStays(d, b, b);
    NewRefsOlder(d, b);
    forall h | h in d'.blocks && h != d.gen ensures d'.Shaped(d'.blocks[h]) && d'.OlderRefs(h) {
      if h != b.id {
        ShapedStays(d, b, d.blocks[h]);
        OlderRefsStay(d, b, h);
      }
    }
  }

  lemma {:induction false} ConsistentAfterPlus(d: Dag, b: FideBlock, c: FideBlock)
    requires d.Stored() && d.Shaped(b) && b.id !in d.blocks && d.Shaped(c) && d.Consistent(c)
    ensures d.Plus(b).Stored() && d.Plus(b).Shaped(c) && d.Plus(b).Consistent(c)
  {
    PlusStored(d, b);
    forall i: nat, j: nat | i < d.shards && j < d.shards && c.Ref(i) != d.gen
      ensures d.Plus(b).blocks[c.Ref(i)].Ref(j) in Anc(d.Plus(b).Tree(), c.Ref(j))
    {
      GraftAnc(d.Tree(), b.id, b.parent, |d.blocks|, c.Ref(j));
    }
  }

  // Accepting only consistent blocks keeps every stored block consistent.
  lemma {:induction false} PlusConsistent(d: Dag, b: FideBlock)
    requires d.Stored() && d.AllConsistent() && d.Shaped(b) && b.id !in d.blocks && d.Consistent(b)
    ensures d.Plus(b).Stored() && d.Plus(b).AllConsistent()
  {
    PlusStored(d, b);
    forall h | h in d.Plus(b).blocks && h != d.gen ensures d.Plus(b).Consistent(d.Plus(b).blocks[h]) {
      if h == b.id {
        ConsistentAfterPlus(d, b, b);
      } else {
        ConsistentAfterPlus(d, b, d.blocks[h]);
      }
    }
  }

  // b refers to blocks on the current chains and extends the top of its own shard.
  ghost predicate ExtendsTops(d: Dag, tops: seq<Hash>, b: FideBlock)
    requires d.Stored() && d.Shaped(b) && d.Tops(tops)
  {
    && b.parent == tops[b.shard]
    && forall i: nat | i < d.shards :: b.Ref(i) in Anc(d.Tree(), tops[i])
  }

  // A block that refers to exactly the tops of a consistent cut is consistent and extends them.
  lemma {:induction false} BlockOnCut(d: Dag, tops: seq<Hash>, b: FideBlock)
    requires d.Stored() && d.Tops(tops) && d.Shaped(b) && forall i: nat | i < d.shards :: b.Ref(i) == tops[i]
    ensures d.ConsistentCut(tops) <==> d.Consistent(b)
    ensures ExtendsTops(d, tops, b)
  {
    forall i: nat | i < d.shards ensures b.Ref(i) in Anc(d.Tree(), tops[i]) {}
  }

  lemma {:induction false} CutEntryAfterMove(d: Dag, tops: seq<Hash>, b: FideBlock, i: nat, j: nat)
    requires d.Stored() && d.Tops(tops) && d.ConsistentCut(tops) && d.Shaped(b) && b.id !in d.blocks && ExtendsTops(d, tops, b)
    requires i < d.shards && j < d.shards
    requires i == b.shard || tops[i] != d.gen
    ensures var src := if i == b.shard then b else d.blocks[tops[i]];
            j < |src.subs| && src.Ref(j) in Anc(d.Tree(), tops[j])
  {
    if i != b.shard {
      assert d.Shaped(d.blocks[tops[i]]);
    }
  }

  lemma {:induction false} ChainAfterMove(d: Dag, tops: seq<Hash>, b: FideBlock, j: nat, r: Hash)
    requires d.Stored() && d.Tops(tops) && d.Shaped(b) && b.id !in d.blocks && ExtendsTops(d, tops, b)
    requires j < d.shards && r in Anc(d.Tree(), tops[j])
    ensures d.Plus(b).Stored() && tops[b.shard := b.id][j] in d.Plus(b).blocks
    ensures r in Anc(d.Plus(b).Tree(), tops[b.shard := b.id][j])
  {
    PlusStored(d, b);
    GraftAnc(d.Tree(), b.id, b.parent, |d.blocks|, tops[j]);
  }

  lemma {:induction false} TopsAfterMove(d: Dag, tops: seq<Hash>, b: FideBlock)
    requires d.Tops(tops) && b.id !in d.blocks && b.shard < d.shards
    ensures d.Plus(b).Tops(tops) && d.Plus(b).Tops(tops[b.shard := b.id])
  {
  }

  // Moving one top up to a block that extends the tops keeps the cut consistent.
  lemma {:induction false} FastPathKeepsCut(d: Dag, tops: seq<Hash>, b: FideBlock)
    requires d.Stored() && d.Tops(tops) && d.ConsistentCut(tops) && d.Shaped(b) && b.id !in d.blocks && ExtendsTops(d, tops, b)
    ensures d.Plus(b).Stored() && d.Plus(b).Tops(tops[b.shard := b.id])
    ensures d.Plus(b).ConsistentCut(tops[b.shard := b.id])
  {
    hide Dag.Stored, Dag.Shaped, Dag.Tops, Dag.Tree, Anc, ExtendsTops;
    PlusStored(d, b);
    ShapedShard(d, b);
    TopsAfterMove(d, tops, b);
    var d', tops' := d.Plus(b), tops[b.shard := b.id];
    TopsLength(d, tops);
    BornInTree(d');
    forall i: nat, j: nat | i < d.shards && j < d.shards && tops'[i] != d.gen
      ensures tops'[i] in d'.blocks && j < |d'.blocks[tops'[i]].subs| && tops'[j] in d'.blocks
      ensures d'.blocks[tops'[i]].Ref(j) in Anc(d'.Tree(), tops'[j])
    {
      hide Dag.ConsistentCut;
      TopStored(d, tops, b, i);
      CutEntryAfterMove(d, tops, b, i, j);
      ChainAfterMove(d, tops, b, j, d'.blocks[tops'[i]].Ref(j));
    }
  }

  lemma {:induction false} BornInTree(d: Dag)
    requires d.Stored()
    ensures WellFormed(d.Tree()) && forall h <- d.blocks :: h in d.Tree().born
  {
  }

  lemma {:induction false} ShapedShard(d: Dag, b: FideBlock)
    requires d.Shaped(b)
    ensures b.shard < d.shards
  {
  }

  lemma {:induction false} TopsLength(d: Dag, tops: seq<Hash>)
    requires d.Tops(tops)
    ensures |tops| == d.shards
  {
  }

  lemma {:induction false} TopStored(d: Dag, tops: seq<Hash>, b: FideBlock, i: nat)
    requires d.Tops(tops) && i < d.shards && b.id !in d.blocks && b.shard < d.shards
    ensures tops[i] in d.blocks && tops[i] != b.id
    ensures var top := tops[b.shard := b.id][i]; top in d.Plus(b).blocks && d.Plus(b).blocks[top] == if i == b.shard then b else d.blocks[tops[i]]
  {
  }
}
