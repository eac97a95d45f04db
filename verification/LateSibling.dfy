/** Why the tops of a re-linearisation need not lie on heaviest branches nor agree with each other: a
    sibling whose references are complete only after the heavier one was processed is processed too,
    and overwrites the top. */
module LateSibling {
  import opened BlockTree
  import opened TreeIndex
  import opened Transactions
  import opened FideDag
  import opened Relinearise

  function Block(id: Hash, shard: nat, r0: Hash, r1: Hash): FideBlock {
    FideBlock(id, shard, if shard == 0 then r0 else r1, [SubBlock(r0, 0, None), SubBlock(r1, 0, None)], 0)
  }

  // On the genesis 0: block 1 of shard 0 with its child 4, block 2 of shard 1 with its child 5, which
  // refers to 1, and block 3 of shard 0, which refers to 2.
  function Blocks(): map<Hash, FideBlock> {
    map[0 := Block(0, 0, 0, 0), 1 := Block(1, 0, 0, 0), 2 := Block(2, 1, 0, 0), 3 := Block(3, 0, 0, 2), 4 := Block(4, 0, 1, 0),
        5 := Block(5, 1, 1, 2)]
  }

  function D(): Dag { Dag(Blocks(), 0, 2, map[0 := 0, 1 := 1, 2 := 2, 3 := 3, 4 := 4, 5 := 5]) }

  const T: Tree := BlockTree.Tree(map[1 := 0, 2 := 0, 3 := 0, 4 := 1, 5 := 2], map[0 := 0, 1 := 1, 2 := 2, 3 := 3, 4 := 4, 5 := 5])

  lemma {:induction false} BlockFacts()
    ensures Blocks().Keys == {0, 1, 2, 3, 4, 5} && forall h <- Blocks() :: Blocks()[h].id == h
    ensures Blocks()[1].parent == 0 && Blocks()[2].parent == 0 && Blocks()[3].parent == 0 && Blocks()[4].parent == 1 && Blocks()[5].parent == 2
    ensures Blocks()[0].shard == Blocks()[1].shard == Blocks()[3].shard == Blocks()[4].shard == 0 && Blocks()[2].shard == Blocks()[5].shard == 1
  {
  }

  lemma {:induction false} TreeOk()
    ensures WellFormed(T)
  {
  }

  lemma {:induction false} TreeOfD()
    ensures D().Tree() == T && WellFormed(T)
  {
    hide Blocks, Block, WellFormed;
    BlockFacts();
    TreeOk();
    assert D().Tree().parent == T.parent;
  }

  lemma {:induction false} OneUp(h: Hash)
    requires 0 <= h <= 5
    ensures WellFormed(T) && h in T.born && (h > 0 ==> h in T.parent && T.parent[h] in T.born)
    ensures Anc(T, h) == if h == 0 then {0} else {h} + Anc(T, T.parent[h])
  {
    hide WellFormed;
    TreeOk();
  }

  lemma {:induction false} Chains()
    ensures WellFormed(T)
    ensures Anc(T, 0) == {0} && Anc(T, 1) == {1, 0} && Anc(T, 2) == {2, 0} && Anc(T, 3) == {3, 0}
    ensures Anc(T, 4) == {4, 1, 0} && Anc(T, 5) == {5, 2, 0}
  {
    hide Anc, WellFormed;
    OneUp(0);
    OneUp(1);
    OneUp(2);
    OneUp(3);
    OneUp(4);
    OneUp(5);
  }

  lemma {:induction false} Weights()
    ensures WellFormed(T) && WeightOf(T, 1) == 2 && WeightOf(T, 2) == 2 && WeightOf(T, 3) == 1
  {
    Chains();
    hide Anc;
    assert Subtree(T, 1) == {1, 4};
    assert Subtree(T, 2) == {2, 5};
    assert Subtree(T, 3) == {3};
  }

  lemma {:induction false} Kids()
    ensures Children(T, 0) == {1, 2, 3} && Children(T, 1) == {4}
    ensures Children(T, 2) == {5} && Children(T, 3) == {} && Children(T, 4) == {} && Children(T, 5) == {}
  {
  }

  lemma {:induction false} AllRefs()
    ensures Refs(Blocks()[1]) == {0} && Refs(Blocks()[2]) == {0} && Refs(Blocks()[3]) == {0, 2} && Refs(Blocks()[4]) == {1, 0}
    ensures Refs(Blocks()[5]) == {1, 2}
  {
    RefsOfBlock(1, 0, 0, 0);
    RefsOfBlock(2, 1, 0, 0);
    RefsOfBlock(3, 0, 0, 2);
    RefsOfBlock(4, 0, 1, 0);
    RefsOfBlock(5, 1, 1, 2);
  }

  lemma {:induction false} RefsOfBlock(id: Hash, shard: nat, r0: Hash, r1: Hash)
    ensures Refs(Block(id, shard, r0, r1)) == {r0, r1}
  {
    var subs := Block(id, shard, r0, r1).subs;
    assert subs[0].remote == r0 && subs[1].remote == r1;
    assert subs[0] in subs && subs[1] in subs;
  }

  lemma {:induction false} ShapedBlock(h: Hash)
    requires 1 <= h <= 5
    ensures D().Shaped(Blocks()[h]) && D().OlderRefs(h)
  {
    var b := Blocks()[h];
    assert |b.subs| == 2;
    forall i: nat | i < 2 ensures b.Ref(i) in D().blocks && (b.Ref(i) == 0 || D().blocks[b.Ref(i)].shard == i) && D().born[b.Ref(i)] < D().born[h] {
    }
  }

  lemma {:induction false} IsStored()
    ensures D().Stored()
  {
    hide Dag.Shaped, Dag.OlderRefs, Dag.Tree, Blocks, Block, WellFormed;
    BlockFacts();
    TreeOfD();
    forall h | h in D().blocks && h != 0 ensures D().Shaped(D().blocks[h]) && D().OlderRefs(h) {
      ShapedBlock(h);
    }
    assert |D().blocks| == |D().blocks.Keys| == 6;
  }

  // Every block agrees with what it refers to, so all of them pass verification.
  lemma {:induction false} IsConsistent()
    ensures D().Stored() && D().AllConsistent()
  {
    hide Dag.Stored, Blocks, Block, Dag.Tree, Dag.Consistent, Dag.Shaped;
    IsStored();
    BlockFacts();
    forall h | h in D().blocks && h != 0 ensures D().Shaped(D().blocks[h]) && D().Consistent(D().blocks[h]) {
      ShapedBlock(h);
      ConsistentBlock(h);
    }
  }

  lemma {:induction false} RefFacts()
    ensures forall h <- Blocks() :: |Blocks()[h].subs| == 2
    ensures Blocks()[1].Ref(0) == Blocks()[1].Ref(1) == Blocks()[2].Ref(0) == Blocks()[2].Ref(1) == 0
    ensures Blocks()[3].Ref(0) == 0 && Blocks()[3].Ref(1) == 2 && Blocks()[4].Ref(0) == 1 && Blocks()[4].Ref(1) == 0
    ensures Blocks()[5].Ref(0) == 1 && Blocks()[5].Ref(1) == 2
  {
  }

  lemma {:induction false} ConsistentBlock(h: Hash)
    requires 1 <= h <= 5 && D().Stored() && h in D().blocks && D().Shaped(Blocks()[h])
    ensures D().Consistent(Blocks()[h])
  {
    hide Dag.Stored, Dag.Tree, Dag.Shaped, Anc, Blocks, Block, FideBlock.Ref;
    BlockFacts();
    TreeOfD();
    Chains();
    RefFacts();
    var b := Blocks()[h];
    forall i: nat, j: nat | i < 2 && j < 2 && b.Ref(i) != 0
      ensures b.Ref(i) in Blocks() && Blocks()[b.Ref(i)].Ref(j) in Anc(T, b.Ref(j))
    {
    }
  }

  lemma {:induction false} ReleasedThen(done: set<Hash>, h: Hash)
    requires h in Blocks()
    ensures Released(D(), done, h) ==
            (if h == 0 then {1, 2} else {})
            + (if h in {0, 2} && {0, 2} <= done + {h} then {3} else {})
            + (if h in {0, 1} && {0, 1} <= done + {h} then {4} else {})
            + (if h in {1, 2} && {1, 2} <= done + {h} then {5} else {})
  {
    hide Blocks, Block, Refs;
    BlockFacts();
    AllRefs();
  }

  // The scan, state after state: 1 is chosen for its weight, then its child comes, then 2 is chosen
  // and its child comes, and only then is 3 ready, alone.
  function State(k: nat): Scan {
    if k == 0 then StartScan(D())
    else if k == 1 then Scan([0], {1, 2}, {1, 2, 3}, {}, {}, [0, 0])
    else if k == 2 then Scan([0], {1, 2}, {2, 3}, {}, {1}, [0, 0])
    else if k == 3 then Scan([0, 1], {2, 4}, {2, 3}, {}, {1}, [1, 0])
    else if k == 4 then Scan([0, 1, 4], {2}, {2, 3}, {}, {1}, [4, 0])
    else if k == 5 then Scan([0, 1, 4], {2}, {3}, {}, {1, 2}, [4, 0])
    else if k == 6 then Scan([0, 1, 4, 2], {3, 5}, {3}, {}, {1, 2}, [4, 2])
    else if k == 7 then Scan([0, 1, 4, 2, 5], {3}, {3}, {}, {1, 2}, [4, 5])
    else if k == 8 then Scan([0, 1, 4, 2, 5], {3}, {}, {}, {1, 2, 3}, [4, 5])
    else Scan([0, 1, 4, 2, 5, 3], {}, {}, {}, {1, 2, 3}, [3, 5])
  }

  lemma {:induction false} ProcessAt(stamp: map<Hash, nat>, s: Scan, h: Hash, s': Scan)
    requires D().Stored() && h in s.ready && h !in s.locked && h in Blocks() && |s.top| == 2
    requires s'.order == s.order + [h] && s'.ready == s.ready + Released(D(), s.Done(), h) - {h}
    requires s'.locked == s.locked + if |Children(T, h)| > 1 then Children(T, h) else {}
    requires s'.dropped == s.dropped && s'.best == s.best && s'.top == s.top[Blocks()[h].shard := h]
    ensures ScanStep(D(), stamp, s, s')
  {
    hide Dag.Stored, Blocks, Block, Released, Children;
    BlockFacts();
    TreeOfD();
    assert s' == Process(D(), s, h, |Children(D().Tree(), h)| > 1);
    ProcessStep(D(), stamp, s, h);
  }

  lemma {:induction false} ChooseAt(stamp: map<Hash, nat>, s: Scan, h: Hash)
    requires D().Stored() && h in s.ready && s.ready <= s.locked && s.ready <= {1, 2, 3} && (h == 1 || s.ready == {h})
    requires forall c <- s.ready | c != h :: Blocks()[c].shard != Blocks()[h].shard
    requires 1 in stamp && 2 in stamp ==> stamp[1] <= stamp[2]
    ensures ScanStep(D(), stamp, s, s.(locked := s.locked - {h}, best := s.best + {h}))
  {
    hide Dag.Stored, Blocks, Block, Dag.Tree, WeightOf;
    BlockFacts();
    TreeOfD();
    Weights();
    assert Rivals(D(), s.ready, h) == {};
    assert MayChoose(D(), stamp, s, h);
    assert Choose(D(), s, h) == s.(locked := s.locked - {h}, best := s.best + {h});
    ChooseStep(D(), stamp, s, h);
  }

  lemma {:induction false} Step0(stamp: map<Hash, nat>)
    requires D().Stored()
    ensures ScanStep(D(), stamp, State(0), State(1))
  {
    hide Dag.Stored, Blocks, Block, Released, Children, ScanStep;
    BlockFacts();
    Kids();
    ReleasedThen({}, 0);
    assert State(0).Done() == {};
    ProcessAt(stamp, State(0), 0, State(1));
  }

  lemma {:induction false} Step1(stamp: map<Hash, nat>)
    requires D().Stored() && (1 in stamp && 2 in stamp ==> stamp[1] <= stamp[2])
    ensures ScanStep(D(), stamp, State(1), State(2))
  {
    hide Dag.Stored, Blocks, Block, ScanStep;
    BlockFacts();
    var s, s' := State(1), State(2);
    ChooseAt(stamp, s, 1);
    assert s'.locked == s.locked - {1} && s'.best == s.best + {1};
    assert s' == s.(locked := s.locked - {1}, best := s.best + {1});
  }

  lemma {:induction false} Step2(stamp: map<Hash, nat>)
    requires D().Stored()
    ensures ScanStep(D(), stamp, State(2), State(3))
  {
    hide Dag.Stored, Blocks, Block, Released, Children, ScanStep;
    BlockFacts();
    Kids();
    ReleasedThen({0}, 1);
    assert State(2).Done() == {0};
    ProcessAt(stamp, State(2), 1, State(3));
  }

  lemma {:induction false} Step3(stamp: map<Hash, nat>)
    requires D().Stored()
    ensures ScanStep(D(), stamp, State(3), State(4))
  {
    hide Dag.Stored, Blocks, Block, Released, Children, ScanStep;
    BlockFacts();
    Kids();
    ReleasedThen({0, 1}, 4);
    assert State(3).Done() == {0, 1};
    ProcessAt(stamp, State(3), 4, State(4));
  }

  lemma {:induction false} Step4(stamp: map<Hash, nat>)
    requires D().Stored() && (1 in stamp && 2 in stamp ==> stamp[1] <= stamp[2])
    ensures ScanStep(D(), stamp, State(4), State(5))
  {
    hide Dag.Stored, Blocks, Block, ScanStep;
    BlockFacts();
    var s, s' := State(4), State(5);
    ChooseAt(stamp, s, 2);
    assert s'.locked == s.locked - {2} && s'.best == s.best + {2};
    assert s' == s.(locked := s.locked - {2}, best := s.best + {2});
  }

  lemma {:induction false} Step5(stamp: map<Hash, nat>)
    requires D().Stored()
    ensures ScanStep(D(), stamp, State(5), State(6))
  {
    hide Dag.Stored, Blocks, Block, Released, Children, ScanStep;
    BlockFacts();
    Kids();
    ReleasedThen({0, 1, 4}, 2);
    assert State(5).Done() == {0, 1, 4};
    ProcessAt(stamp, State(5), 2, State(6));
  }

  lemma {:induction false} Step6(stamp: map<Hash, nat>)
    requires D().Stored()
    ensures ScanStep(D(), stamp, State(6), State(7))
  {
    hide Dag.Stored, Blocks, Block, Released, Children, ScanStep;
    BlockFacts();
    Kids();
    ReleasedThen({0, 1, 4, 2}, 5);
    assert State(6).Done() == {0, 1, 4, 2};
    ProcessAt(stamp, State(6), 5, State(7));
  }

  lemma {:induction false} Step7(stamp: map<Hash, nat>)
    requires D().Stored() && (1 in stamp && 2 in stamp ==> stamp[1] <= stamp[2])
    ensures ScanStep(D(), stamp, State(7), State(8))
  {
    hide Dag.Stored, Blocks, Block, ScanStep;
    BlockFacts();
    var s, s' := State(7), State(8);
    ChooseAt(stamp, s, 3);
    assert s'.locked == s.locked - {3} && s'.best == s.best + {3};
    assert s' == s.(locked := s.locked - {3}, best := s.best + {3});
  }

  lemma {:induction false} Step8(stamp: map<Hash, nat>)
    requires D().Stored()
    ensures ScanStep(D(), stamp, State(8), State(9))
  {
    hide Dag.Stored, Blocks, Block, Released, Children, ScanStep;
    BlockFacts();
    Kids();
    ReleasedThen({0, 1, 4, 2, 5}, 3);
    assert State(8).Done() == {0, 1, 4, 2, 5};
    ProcessAt(stamp, State(8), 3, State(9));
  }

  lemma {:induction false} ScannedToEnd(stamp: map<Hash, nat>)
    requires D().Stored() && (1 in stamp && 2 in stamp ==> stamp[1] <= stamp[2])
    ensures Scanned(D(), stamp, State(9))
  {
    hide Dag.Stored, ScanStep, Scanned, D, State, StartScan;
    assert State(0) == StartScan(D()) by { FirstState(); }
    ScanStarts(D(), stamp);
    Step0(stamp);
    ScanGoesOn(D(), stamp, State(0), State(1));
    Step1(stamp);
    ScanGoesOn(D(), stamp, State(1), State(2));
    Step2(stamp);
    ScanGoesOn(D(), stamp, State(2), State(3));
    Step3(stamp);
    ScanGoesOn(D(), stamp, State(3), State(4));
    Step4(stamp);
    ScanGoesOn(D(), stamp, State(4), State(5));
    Step5(stamp);
    ScanGoesOn(D(), stamp, State(5), State(6));
    Step6(stamp);
    ScanGoesOn(D(), stamp, State(6), State(7));
    Step7(stamp);
    ScanGoesOn(D(), stamp, State(7), State(8));
    Step8(stamp);
    ScanGoesOn(D(), stamp, State(8), State(9));
  }

  lemma {:induction false} FirstState()
    ensures State(0) == StartScan(D())
  {}

  // A complete scan of consistent blocks that ends on the lighter of two siblings, while the other
  // top refers to the heavier one.
  lemma {:induction false} LighterSiblingIsTop(stamp: map<Hash, nat>) returns (scan: Scan)
    requires 1 in stamp && 2 in stamp ==> stamp[1] <= stamp[2]
    ensures D().Stored() && D().AllConsistent() && Scanned(D(), stamp, scan) && scan.ready == {}
    ensures Siblings(D(), 1, 3) && {1, 3} <= scan.Done() && scan.top == [3, 5]
    ensures WeightOf(D().Tree(), 3) < WeightOf(D().Tree(), 1)
    ensures D().Tops(scan.top) && !D().ConsistentCut(scan.top)
  {
    hide Dag.Stored, Dag.AllConsistent, Scanned, WeightOf, Blocks, Block, Dag.Tree, Anc, FideBlock.Ref;
    IsConsistent();
    ScannedToEnd(stamp);
    BlockFacts();
    RefFacts();
    TreeOfD();
    Chains();
    Weights();
    scan := State(9);
    assert scan.order[1] == 1 && scan.order[5] == 3;
    assert scan.top[1] == 5 && Blocks()[5].Ref(0) == 1 && 1 !in Anc(T, scan.top[0]);
  }
}
