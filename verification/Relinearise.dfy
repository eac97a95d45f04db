/** The scan of FindBestBranches (Monosulfide/MonosulfideChain.go:382-449) on values: blocks whose
    references are all processed become ready; siblings are locked; when only locked blocks are
    ready, the heaviest one is unlocked and its ready rivals of the same shard are dropped. */
module Relinearise {
  import opened BlockTree
  import opened TreeIndex
  import opened Transactions
  import opened FideDag

  datatype Scan = Scan(order: seq<Hash>, ready: set<Hash>, locked: set<Hash>,
                       dropped: set<Hash>, best: set<Hash>, top: seq<Hash>) {
    function Done(): set<Hash> { Elements(order) }
  }

  function Refs(b: FideBlock): set<Hash> { set s <- b.subs :: s.remote }

  function StartScan(d: Dag): Scan {
    Scan([], {d.gen}, {}, {}, {}, seq(d.shards, _ => d.gen))
  }

  // The blocks that processing h makes ready.
  ghost function Released(d: Dag, done: set<Hash>, h: Hash): set<Hash> {
    set c | c in d.blocks && c != d.gen && h in Refs(d.blocks[c]) && Refs(d.blocks[c]) <= done + {h}
  }

  // Processes the unlocked ready block h; its children are locked when there are several of them.
  ghost function Process(d: Dag, s: Scan, h: Hash, forks: bool): Scan
    requires h in d.blocks && d.blocks[h].shard < |s.top|
  {
    Scan(s.order + [h],
         s.ready + Released(d, s.Done(), h) - {h},
         if forks then s.locked + Children(d.Tree(), h) else s.locked,
         s.dropped, s.best, s.top[d.blocks[h].shard := h])
  }

  // The ready rivals of best in its own shard.
  ghost function Rivals(d: Dag, ready: set<Hash>, best: Hash): set<Hash>
    requires best in d.blocks
  {
    set c | c in ready && c in d.blocks && d.blocks[c].shard == d.blocks[best].shard && c != best
  }

  ghost function Choose(d: Dag, s: Scan, best: Hash): Scan
    requires best in d.blocks
  {
    var rivals := Rivals(d, s.ready, best);
    Scan(s.order, s.ready - rivals, s.locked - rivals - {best}, s.dropped + rivals, s.best + {best}, s.top)
  }

  // Each block comes once, after everything it refers to.
  ghost predicate CausalOrder(d: Dag, order: seq<Hash>) {
    && (forall i, j | 0 <= i < j < |order| :: order[i] != order[j])
    && forall k | 0 <= k < |order| :: order[k] in d.blocks && (order[k] != d.gen ==> Refs(d.blocks[order[k]]) <= Elements(order[..k]))
  }

  // The last block of shard i in the order, or the genesis.
  ghost function LastOf(d: Dag, order: seq<Hash>, i: nat): Hash {
    if order == [] then d.gen
    else
      var h := order[|order| - 1];
      if h in d.blocks && d.blocks[h].shard == i then h else LastOf(d, order[..|order| - 1], i)
  }

  // c was thrown out in favour of a chosen block of its shard that weighs at least as much.
  ghost predicate Outweighed(d: Dag, best: set<Hash>, c: Hash)
    requires WellFormed(d.Tree())
  {
    c in d.blocks && c != d.gen &&
    exists b <- best :: b in d.blocks && b != c && d.blocks[b].shard == d.blocks[c].shard
                        && WeightOf(d.Tree(), c) <= WeightOf(d.Tree(), b)
  }

  // h has siblings, so it is locked when its parent is processed.
  ghost predicate Contested(d: Dag, h: Hash) {
    h in d.blocks && h != d.gen && |Children(d.Tree(), d.blocks[h].parent)| > 1
  }

  // A contested block whose parent is processed stays locked until it is chosen or dropped.
  ghost predicate LocksOk(d: Dag, s: Scan) {
    && s.Done() !! s.locked
    && forall c <- d.blocks | Contested(d, c) && d.blocks[c].parent in s.Done() && c !in s.dropped :: c in s.locked || c in s.best
  }

  // best may be unlocked: everything ready is locked, nothing ready is heavier, and of the equally
  // heavy none is older.
  ghost predicate MayChoose(d: Dag, stamp: map<Hash, nat>, s: Scan, best: Hash)
    requires d.Stored()
  {
    && best in s.ready && best in d.blocks && s.ready <= s.locked
    && (forall c <- s.ready :: WeightOf(d.Tree(), c) <= WeightOf(d.Tree(), best))
    && forall c <- s.ready | WeightOf(d.Tree(), c) == WeightOf(d.Tree(), best) && best in stamp && c in stamp :: stamp[best] <= stamp[c]
  }

  // One step of the scan: an unlocked ready block is processed and locks its children if there are
  // several, or, when all ready blocks are locked, one of them is chosen.
  ghost predicate ScanStep(d: Dag, stamp: map<Hash, nat>, s: Scan, s': Scan)
    requires d.Stored()
  {
    || (exists h :: h in s.ready && h !in s.locked && h in d.blocks && d.blocks[h].shard < |s.top|
                    && s' == Process(d, s, h, |Children(d.Tree(), h)| > 1))
    || (exists best :: MayChoose(d, stamp, s, best) && s' == Choose(d, s, best))
  }

  ghost predicate IsScan(d: Dag, stamp: map<Hash, nat>, trace: seq<Scan>)
    requires d.Stored()
  {
    trace != [] && trace[0] == StartScan(d) && forall k | 0 <= k < |trace| - 1 :: ScanStep(d, stamp, trace[k], trace[k + 1])
  }

  // s is reached from the start by steps of the scan.
  ghost predicate Scanned(d: Dag, stamp: map<Hash, nat>, s: Scan)
    requires d.Stored()
  {
    exists trace :: IsScan(d, stamp, trace) && trace[|trace| - 1] == s
  }

  lemma {:induction false} ScanStarts(d: Dag, stamp: map<Hash, nat>)
    requires d.Stored()
    ensures Scanned(d, stamp, StartScan(d))
  {
    assert IsScan(d, stamp, [StartScan(d)]);
  }

  lemma {:induction false} ScanGoesOn(d: Dag, stamp: map<Hash, nat>, s: Scan, s': Scan)
    requires d.Stored() && Scanned(d, stamp, s) && ScanStep(d, stamp, s, s')
    ensures Scanned(d, stamp, s')
  {
    hide ScanStep, Dag.Stored;
    var trace :| IsScan(d, stamp, trace) && trace[|trace| - 1] == s;
    var longer := trace + [s'];
    forall k | 0 <= k < |longer| - 1 ensures ScanStep(d, stamp, longer[k], longer[k + 1]) {
      if k < |trace| - 1 {
        assert ScanStep(d, stamp, trace[k], trace[k + 1]);
      }
    }
    assert IsScan(d, stamp, longer);
  }

  lemma {:induction false} ProcessStep(d: Dag, stamp: map<Hash, nat>, s: Scan, h: Hash)
    requires d.Stored() && h in s.ready && h !in s.locked && h in d.blocks && d.blocks[h].shard < |s.top|
    ensures ScanStep(d, stamp, s, Process(d, s, h, |Children(d.Tree(), h)| > 1))
  {}

  lemma {:induction false} ChooseStep(d: Dag, stamp: map<Hash, nat>, s: Scan, best: Hash)
    requires d.Stored() && MayChoose(d, stamp, s, best)
    ensures ScanStep(d, stamp, s, Choose(d, s, best))
  {}

  ghost predicate ScanOk(d: Dag, s: Scan)
    requires d.Stored()
  {
    LocksOk(d, s) && OrderOk(d, s)
  }

  ghost predicate OrderOk(d: Dag, s: Scan)
    requires d.Stored()
  {
    && SetsOk(d, s) && ReadyOk(d, s) && TopsOk(d, s)
    && (forall c <- s.dropped :: Outweighed(d, s.best, c))
  }

  // A block has been reached exactly if all its references are processed.
  ghost predicate SetsOk(d: Dag, s: Scan) {
    && s.Done() !! s.ready && s.Done() !! s.dropped && s.ready !! s.dropped
    && s.Done() <= d.blocks.Keys && s.ready <= d.blocks.Keys && s.dropped <= d.blocks.Keys
    && d.gen in s.Done() + s.ready && d.gen !in s.dropped
    && forall c <- d.blocks | c != d.gen :: c in s.Done() + s.ready + s.dropped <==> Refs(d.blocks[c]) <= s.Done()
  }

  // Chosen blocks are processed, or ready and unlocked; locked blocks hang on processed ones.
  ghost predicate ReadyOk(d: Dag, s: Scan) {
    && s.best <= s.Done() + (s.ready - s.locked)
    && forall c <- s.locked :: c in d.blocks && c != d.gen && d.blocks[c].parent in s.Done()
  }

  ghost predicate TopsOk(d: Dag, s: Scan) {
    CausalOrder(d, s.order) && |s.top| == d.shards && forall i: nat | i < d.shards :: s.top[i] == LastOf(d, s.order, i)
  }

  lemma {:induction false} RefIndex(b: FideBlock, r: Hash) returns (i: nat)
    requires r in Refs(b)
    ensures i < |b.subs| && b.Ref(i) == r
  {
    var s :| s in b.subs && s.remote == r;
    i :| 0 <= i < |b.subs| && b.subs[i] == s;
  }

  lemma {:induction false} RefsOfShaped(d: Dag, b: FideBlock)
    requires d.Shaped(b)
    ensures b.parent in Refs(b) && Refs(b) <= d.blocks.Keys
    ensures forall i: nat | i < d.shards :: b.Ref(i) in Refs(b)
  {
    assert b.subs[b.shard] in b.subs;
    forall r | r in Refs(b) ensures r in d.blocks {
      var i := RefIndex(b, r);
      assert b.Ref(i) in d.blocks;
    }
  }

  lemma {:induction false} StartOk(d: Dag)
    requires d.Stored()
    ensures ScanOk(d, StartScan(d))
  {
    hide LocksOk, SetsOk, ReadyOk, TopsOk, Dag.Stored;
    StartLocks(d);
    StartSets(d);
    StartTops(d);
  }

  lemma {:induction false} StartSets(d: Dag)
    requires d.Stored()
    ensures SetsOk(d, StartScan(d)) && ReadyOk(d, StartScan(d))
  {
    var s := StartScan(d);
    assert s.Done() == {} && d.gen in d.blocks;
    forall c | c in d.blocks && c != d.gen ensures !(Refs(d.blocks[c]) <= {}) {
      RefsOfShaped(d, d.blocks[c]);
    }
    hide Dag.Stored, Refs;
  }

  lemma {:induction false} StartTops(d: Dag)
    ensures TopsOk(d, StartScan(d))
  {
    hide Refs;
  }

  lemma {:induction false} StartLocks(d: Dag)
    ensures LocksOk(d, StartScan(d))
  {
    hide Contested;
  }

  lemma {:induction false} OrderGrows(d: Dag, order: seq<Hash>, h: Hash)
    requires CausalOrder(d, order) && h in d.blocks && h !in Elements(order)
    requires h != d.gen ==> Refs(d.blocks[h]) <= Elements(order)
    ensures CausalOrder(d, order + [h])
    ensures Elements(order + [h]) == Elements(order) + {h}
    ensures forall i: nat :: LastOf(d, order + [h], i) == if d.blocks[h].shard == i then h else LastOf(d, order, i)
  {
    var order' := order + [h];
    assert order'[..|order|] == order;
    forall k | 0 <= k < |order'|
      ensures order'[k] in d.blocks && (order'[k] != d.gen ==> Refs(d.blocks[order'[k]]) <= Elements(order'[..k]))
    {
      if k < |order| {
        assert order'[..k] == order[..k];
      }
    }
  }

  // Processing a block locks its children exactly if they are contested.
  lemma {:induction false} ProcessLocks(d: Dag, s: Scan, h: Hash)
    requires d.Stored() && ScanOk(d, s) && h in s.ready && h !in s.locked && h in d.blocks && d.blocks[h].shard < |s.top|
    requires Process(d, s, h, |Children(d.Tree(), h)| > 1).Done() == s.Done() + {h}
    ensures LocksOk(d, Process(d, s, h, |Children(d.Tree(), h)| > 1))
  {
    hide OrderOk, Dag.Stored, Released, Contested;
    var s' := Process(d, s, h, |Children(d.Tree(), h)| > 1);
    ReadyNotDone(d, s);
    forall c | c in s'.Done() ensures c !in s'.locked {
      if c in Children(d.Tree(), h) {
        ChildUntouched(d, s, h, c);
      }
    }
    forall c | c in d.blocks && Contested(d, c) && d.blocks[c].parent in s'.Done() && c !in s'.dropped ensures c in s'.locked || c in s'.best {
      if d.blocks[c].parent == h {
        ContestedChild(d, c);
      }
    }
  }

  lemma {:induction false} ReadyNotDone(d: Dag, s: Scan)
    requires d.Stored() && OrderOk(d, s)
    ensures s.ready !! s.Done()
  {}

  lemma {:induction false} ContestedChild(d: Dag, c: Hash)
    requires Contested(d, c)
    ensures c in d.blocks && c in Children(d.Tree(), d.blocks[c].parent) && |Children(d.Tree(), d.blocks[c].parent)| > 1
  {}

  // The children of an unprocessed block have not been reached.
  lemma {:induction false} ChildUntouched(d: Dag, s: Scan, h: Hash, c: Hash)
    requires d.Stored() && OrderOk(d, s) && h !in s.Done() && c in Children(d.Tree(), h)
    ensures c in d.blocks && c != d.gen && d.blocks[c].parent == h && c != h && c !in s.Done() + s.ready + s.dropped
  {
    RefsOfShaped(d, d.blocks[c]);
  }

  lemma {:induction false} ProcessOk(d: Dag, s: Scan, h: Hash)
    requires d.Stored() && ScanOk(d, s) && h in s.ready && h !in s.locked
    ensures h in d.blocks && d.blocks[h].shard < |s.top|
    ensures ScanOk(d, Process(d, s, h, |Children(d.Tree(), h)| > 1))
    ensures Process(d, s, h, |Children(d.Tree(), h)| > 1).Done() == s.Done() + {h}
  {
    hide LocksOk, Contested;
    ProcessOrder(d, s, h, |Children(d.Tree(), h)| > 1);
    ProcessLocks(d, s, h);
  }

  lemma {:induction false} ProcessOrder(d: Dag, s: Scan, h: Hash, forks: bool)
    requires d.Stored() && OrderOk(d, s) && h in s.ready && h !in s.locked
    ensures h in d.blocks && d.blocks[h].shard < |s.top|
    ensures OrderOk(d, Process(d, s, h, forks))
    ensures Process(d, s, h, forks).Done() == s.Done() + {h}
  {
    hide Dag.Stored, SetsOk, ReadyOk, TopsOk, Outweighed, Released, Scan.Done;
    ProcessTops(d, s, h, forks);
    ProcessSets(d, s, h, forks);
    ProcessReady(d, s, h, forks);
  }

  lemma {:induction false} ProcessTops(d: Dag, s: Scan, h: Hash, forks: bool)
    requires d.Stored() && SetsOk(d, s) && TopsOk(d, s) && h in s.ready
    ensures h in d.blocks && d.blocks[h].shard < |s.top|
    ensures TopsOk(d, Process(d, s, h, forks)) && Process(d, s, h, forks).Done() == s.Done() + {h}
  {
    hide CausalOrder, LastOf;
    assert h != d.gen ==> d.Shaped(d.blocks[h]);
    OrderGrows(d, s.order, h);
  }

  lemma {:induction false} ProcessSets(d: Dag, s: Scan, h: Hash, forks: bool)
    requires d.Stored() && OrderOk(d, s) && h in s.ready && h in d.blocks && d.blocks[h].shard < |s.top|
    requires Process(d, s, h, forks).Done() == s.Done() + {h}
    ensures SetsOk(d, Process(d, s, h, forks))
  {
    hide Dag.Stored, ReadyOk, TopsOk, Released, Refs, Scan.Done;
    var s' := Process(d, s, h, forks);
    forall c | c in d.blocks && c != d.gen
      ensures c in s'.Done() + s'.ready + s'.dropped <==> Refs(d.blocks[c]) <= s'.Done()
      ensures c in Released(d, s.Done(), h) ==> c != h && c !in s.Done() + s.ready + s.dropped
    {
      ReachedAfter(d, s, h, c);
    }
    ReleasedStored(d, s.Done(), h);
  }

  lemma {:induction false} ReleasedStored(d: Dag, done: set<Hash>, h: Hash)
    ensures Released(d, done, h) <= d.blocks.Keys - {d.gen}
  {}

  lemma {:induction false} ProcessReady(d: Dag, s: Scan, h: Hash, forks: bool)
    requires d.Stored() && OrderOk(d, s) && h in s.ready && h in d.blocks && d.blocks[h].shard < |s.top|
    requires Process(d, s, h, forks).Done() == s.Done() + {h}
    ensures ReadyOk(d, Process(d, s, h, forks))
  {
    hide Dag.Stored, TopsOk, Released, Refs, Scan.Done, Children;
    forall c | c in Children(d.Tree(), h)
      ensures c in d.blocks && c != d.gen && c !in s.Done() + s.ready + s.dropped + {h} && d.blocks[c].parent == h
    {
      ChildUntouched(d, s, h, c);
    }
  }

  lemma {:induction false} ReachedAfter(d: Dag, s: Scan, h: Hash, c: Hash)
    requires d.Stored() && OrderOk(d, s) && h in s.ready && c in d.blocks && c != d.gen
    ensures c in s.Done() + s.ready + s.dropped + Released(d, s.Done(), h) <==> Refs(d.blocks[c]) <= s.Done() + {h}
    ensures c in Released(d, s.Done(), h) ==> c != h && c !in s.Done() + s.ready + s.dropped
  {
    hide Dag.Stored, ReadyOk, TopsOk, Outweighed;
    assert c in s.Done() + s.ready + s.dropped <==> Refs(d.blocks[c]) <= s.Done();
  }

  lemma {:induction false} ChooseOk(d: Dag, s: Scan, best: Hash)
    requires d.Stored() && ScanOk(d, s) && best in s.ready && s.ready <= s.locked
    requires forall c <- s.ready :: WeightOf(d.Tree(), c) <= WeightOf(d.Tree(), best)
    ensures ScanOk(d, Choose(d, s, best))
  {
    hide Contested;
    var s' := Choose(d, s, best);
    forall c | c in s'.dropped ensures Outweighed(d, s'.best, c) {
      if c in s.dropped {
        assert Outweighed(d, s.best, c);
      } else {
        assert best in s'.best;
      }
    }
  }

  // Every state of the scan satisfies the invariant.
  lemma {:induction false} ScannedOk(d: Dag, stamp: map<Hash, nat>, trace: seq<Scan>, k: nat)
    requires d.Stored() && IsScan(d, stamp, trace) && k < |trace|
    ensures ScanOk(d, trace[k])
  {
    hide ScanOk, Dag.Stored, Process, Choose, MayChoose;
    if k == 0 {
      StartOk(d);
    } else {
      ScannedOk(d, stamp, trace, k - 1);
      var s := trace[k - 1];
      assert ScanStep(d, stamp, s, trace[k - 1 + 1]);
      StepKeepsOk(d, stamp, s, trace[k]);
    }
  }

  lemma {:induction false} StepKeepsOk(d: Dag, stamp: map<Hash, nat>, s: Scan, s': Scan)
    requires d.Stored() && ScanOk(d, s) && ScanStep(d, stamp, s, s')
    ensures ScanOk(d, s')
  {
    hide ScanOk, Dag.Stored, Process, Choose;
    if h :| h in s.ready && h !in s.locked && h in d.blocks && d.blocks[h].shard < |s.top|
            && s' == Process(d, s, h, |Children(d.Tree(), h)| > 1) {
      ProcessOk(d, s, h);
    } else {
      var best :| MayChoose(d, stamp, s, best) && s' == Choose(d, s, best);
      ChooseOk(d, s, best);
    }
  }

  // A processed block that has siblings was chosen: forks are decided, never followed on both sides
  // without a decision.
  lemma {:induction false} ForksAreDecided(d: Dag, stamp: map<Hash, nat>, trace: seq<Scan>, k: nat, h: Hash)
    requires d.Stored() && IsScan(d, stamp, trace) && k < |trace| && h in trace[k].Done() && Contested(d, h)
    ensures h in trace[k].best
  {
    ScannedOk(d, stamp, trace, k);
    var s := trace[k];
    ParentDone(d, s, h);
  }

  lemma {:induction false} ParentDone(d: Dag, s: Scan, h: Hash)
    requires d.Stored() && OrderOk(d, s) && h in s.Done() && h != d.gen
    ensures h in d.blocks && d.blocks[h].parent in s.Done() && h !in s.dropped
  {
    var k :| 0 <= k < |s.order| && s.order[k] == h;
    assert d.Shaped(d.blocks[h]);
    RefsOfShaped(d, d.blocks[h]);
    forall x | x in s.order[..k] ensures x in s.order {}
  }

  // A block is chosen at some step, and then nothing ready is heavier.
  lemma {:induction false} ChosenIsHeaviest(d: Dag, stamp: map<Hash, nat>, trace: seq<Scan>, k: nat, h: Hash) returns (j: nat)
    requires d.Stored() && IsScan(d, stamp, trace) && k < |trace| && h in trace[k].best
    ensures j < k && MayChoose(d, stamp, trace[j], h) && trace[j + 1] == Choose(d, trace[j], h)
    ensures h !in trace[j].best && h in trace[j + 1].best
  {
    hide Dag.Stored, MayChoose;
    if k > 0 && h !in trace[k - 1].best {
      j := k - 1;
      assert ScanStep(d, stamp, trace[j], trace[j + 1]);
    } else if k > 0 {
      j := ChosenIsHeaviest(d, stamp, trace, k - 1, h);
    }
  }

  // Only blocks that have siblings are ever locked, chosen or dropped.
  ghost predicate ForksOnly(d: Dag, s: Scan) {
    forall c <- s.locked + s.best + s.dropped :: Contested(d, c)
  }

  lemma {:induction false} ChildrenContested(d: Dag, h: Hash)
    requires |Children(d.Tree(), h)| > 1
    ensures forall c <- Children(d.Tree(), h) :: Contested(d, c)
  {
    forall c | c in Children(d.Tree(), h) ensures c in d.blocks && c != d.gen && d.blocks[c].parent == h {
    }
  }

  lemma {:induction false} StepForksOnly(d: Dag, stamp: map<Hash, nat>, s: Scan, s': Scan)
    requires d.Stored() && ForksOnly(d, s) && ScanStep(d, stamp, s, s')
    ensures ForksOnly(d, s')
  {
    hide Dag.Stored, Released, Contested, Children, Dag.Tree;
    if h :| h in s.ready && h !in s.locked && h in d.blocks && d.blocks[h].shard < |s.top|
            && s' == Process(d, s, h, |Children(d.Tree(), h)| > 1) {
      if |Children(d.Tree(), h)| > 1 {
        ChildrenContested(d, h);
      }
    }
  }

  lemma {:induction false} OnlyForksAreDecided(d: Dag, stamp: map<Hash, nat>, trace: seq<Scan>, k: nat)
    requires d.Stored() && IsScan(d, stamp, trace) && k < |trace|
    ensures ForksOnly(d, trace[k])
  {
    hide Dag.Stored, ScanStep, ForksOnly;
    if k == 0 {
      assert ForksOnly(d, StartScan(d)) by { NothingLocked(d); }
    } else {
      OnlyForksAreDecided(d, stamp, trace, k - 1);
      StepForksOnly(d, stamp, trace[k - 1], trace[k - 1 + 1]);
    }
  }

  lemma {:induction false} NothingLocked(d: Dag)
    ensures ForksOnly(d, StartScan(d))
  {
  }

  // Blocks of one shard.
  ghost predicate Rivalling(d: Dag, a: Hash, b: Hash) {
    a in d.blocks && b in d.blocks && a != b && d.blocks[a].shard == d.blocks[b].shard
  }

  // Processing and dropping are final, and a chosen block stays chosen.
  ghost predicate Onward(s: Scan, s': Scan) {
    s.order <= s'.order && s.dropped <= s'.dropped && s.best <= s'.best && s.ready <= s'.ready + s'.Done() + s'.dropped
  }

  lemma {:induction false} StepOnward(d: Dag, stamp: map<Hash, nat>, s: Scan, s': Scan)
    requires d.Stored() && ScanStep(d, stamp, s, s')
    ensures Onward(s, s')
  {
    hide Dag.Stored, MayChoose, Released;
  }

  lemma {:induction false} ScanOnward(d: Dag, stamp: map<Hash, nat>, trace: seq<Scan>, j: nat, k: nat)
    requires d.Stored() && IsScan(d, stamp, trace) && j <= k < |trace|
    ensures Onward(trace[j], trace[k])
    decreases k
  {
    hide Dag.Stored, ScanStep;
    if j < k {
      ScanOnward(d, stamp, trace, j, k - 1);
      StepOnward(d, stamp, trace[k - 1], trace[k - 1 + 1]);
    }
  }

  // The step that chooses h throws out every ready rival of h.
  lemma {:induction false} ChoiceDrops(d: Dag, stamp: map<Hash, nat>, s: Scan, s': Scan, h: Hash, c: Hash)
    requires d.Stored() && ScanStep(d, stamp, s, s') && h in s'.best && h !in s.best
    requires c in s.ready && Rivalling(d, h, c)
    ensures c in s'.dropped
  {
    hide Dag.Stored;
  }

  // A fork is decided for good: what was ready beside a chosen block of its shard is never processed.
  lemma {:induction false} LosersStayOut(d: Dag, stamp: map<Hash, nat>, trace: seq<Scan>, j: nat, k: nat, h: Hash, c: Hash)
    requires d.Stored() && IsScan(d, stamp, trace) && j + 1 < |trace| && k < |trace|
    requires h in trace[j + 1].best && h !in trace[j].best && c in trace[j].ready && Rivalling(d, h, c)
    ensures c !in trace[k].Done()
  {
    hide Dag.Stored, ScanStep, Rivalling;
    assert ScanStep(d, stamp, trace[j], trace[j + 1]);
    ChoiceDrops(d, stamp, trace[j], trace[j + 1], h, c);
    var last := if k <= j then j + 1 else k;
    ScanOnward(d, stamp, trace, j + 1, last);
    ScanOnward(d, stamp, trace, k, last);
    ScannedOk(d, stamp, trace, last);
  }

  // The step after a choice processes the chosen block: it is the only unlocked one.
  lemma {:induction false} OnlyChosenUnlocked(d: Dag, stamp: map<Hash, nat>, s: Scan, s1: Scan, s2: Scan, h: Hash)
    requires d.Stored() && ScanStep(d, stamp, s, s1) && ScanStep(d, stamp, s1, s2) && h in s1.best && h !in s.best
    ensures s1.order == s.order && s2.order == s.order + [h]
  {
    hide Dag.Stored, Released;
    var best :| MayChoose(d, stamp, s, best) && s1 == Choose(d, s, best);
    assert best == h && h in s1.ready && h !in s1.locked;
  }

  // Two blocks of one shard on the same parent.
  ghost predicate Siblings(d: Dag, a: Hash, b: Hash) {
    Rivalling(d, a, b) && a != d.gen && b != d.gen && d.blocks[a].parent == d.blocks[b].parent
  }

  // A second sibling comes into the order only if a reference of it came no earlier than the first.
  ghost predicate ForksOnce(d: Dag, order: seq<Hash>) {
    forall i, j | 0 <= i < j < |order| && Siblings(d, order[i], order[j]) :: !(Refs(d.blocks[order[j]]) <= Elements(order[..i]))
  }

  lemma {:induction false} SiblingsContested(d: Dag, a: Hash, b: Hash)
    requires Siblings(d, a, b)
    ensures Contested(d, a)
  {
    var cs := Children(d.Tree(), d.blocks[a].parent);
    assert {a, b} <= cs;
    assert |cs| == |{a, b}| + |cs - {a, b}|;
  }

  // Of siblings that are ready together, one is processed at most.
  lemma {:induction false} ForksAreTakenOnce(d: Dag, stamp: map<Hash, nat>, s: Scan)
    requires d.Stored() && Scanned(d, stamp, s)
    ensures ForksOnce(d, s.order)
  {
    hide Dag.Stored, ScanStep, Refs;
    var trace :| IsScan(d, stamp, trace) && trace[|trace| - 1] == s;
    forall i, j | 0 <= i < j < |s.order| && Siblings(d, s.order[i], s.order[j])
      ensures !(Refs(d.blocks[s.order[j]]) <= Elements(s.order[..i]))
    {
      FirstSiblingWins(d, stamp, trace, i, j);
    }
  }

  // When the block at place i was chosen, exactly the blocks before it had been processed.
  lemma {:induction false} ChoiceIsNext(d: Dag, stamp: map<Hash, nat>, trace: seq<Scan>, k: nat, i: nat)
    requires d.Stored() && IsScan(d, stamp, trace) && k + 1 < |trace| && i < |trace[|trace| - 1].order|
    requires var a := trace[|trace| - 1].order[i]; a in trace[k + 1].best && a !in trace[k].best && a in trace[k].ready
    ensures trace[k].order == trace[|trace| - 1].order[..i]
  {
    hide Dag.Stored, ScanStep, ScanOk;
    var last := |trace| - 1;
    var s, a := trace[last], trace[last].order[i];
    assert ScanStep(d, stamp, trace[k], trace[k + 1]);
    ScannedOk(d, stamp, trace, k);
    ReadyOnce(d, trace[k], a);
    SameOrder(d, stamp, trace[k], trace[k + 1], a);
    assert k + 1 < last by {
      assert a in s.Done();
    }
    assert ScanStep(d, stamp, trace[k + 1], trace[k + 2]);
    OnlyChosenUnlocked(d, stamp, trace[k], trace[k + 1], trace[k + 2], a);
    ScanOnward(d, stamp, trace, k + 2, last);
    var n := |trace[k].order|;
    assert s.order[n] == a;
    ScannedOk(d, stamp, trace, last);
    OrderedOnce(d, s);
  }

  lemma {:induction false} SameOrder(d: Dag, stamp: map<Hash, nat>, s: Scan, s1: Scan, h: Hash)
    requires d.Stored() && ScanStep(d, stamp, s, s1) && h in s1.best && h !in s.best
    ensures s1.order == s.order
  {
    hide Dag.Stored, MayChoose;
  }

  lemma {:induction false} ReadyOnce(d: Dag, s: Scan, h: Hash)
    requires d.Stored() && ScanOk(d, s) && h in s.ready
    ensures h !in s.Done()
  {
    hide Dag.Stored, LocksOk, ReadyOk, TopsOk;
  }

  lemma {:induction false} OrderedOnce(d: Dag, s: Scan)
    requires d.Stored() && ScanOk(d, s)
    ensures forall m, n | 0 <= m < n < |s.order| :: s.order[m] != s.order[n]
  {
    hide Dag.Stored, LocksOk, ReadyOk, SetsOk;
  }

  lemma {:induction false} FirstSiblingWins(d: Dag, stamp: map<Hash, nat>, trace: seq<Scan>, i: nat, j: nat)
    requires d.Stored() && IsScan(d, stamp, trace)
    requires var s := trace[|trace| - 1]; i < j < |s.order| && Siblings(d, s.order[i], s.order[j])
    ensures var s := trace[|trace| - 1]; !(Refs(d.blocks[s.order[j]]) <= Elements(s.order[..i]))
  {
    hide Dag.Stored, ScanStep, ScanOk, Refs, Contested, Choose;
    var last := |trace| - 1;
    var s, a, b := trace[last], trace[last].order[i], trace[last].order[j];
    SiblingsContested(d, a, b);
    ForksAreDecided(d, stamp, trace, last, a);
    var k := ChosenIsHeaviest(d, stamp, trace, last, a);
    ChoiceIsNext(d, stamp, trace, k, i);
    if Refs(d.blocks[b]) <= Elements(s.order[..i]) {
      ScannedOk(d, stamp, trace, k);
      ScannedOk(d, stamp, trace, last);
      OrderedOnce(d, s);
      ReachedOrDropped(d, trace[k], b);
      ScanOnward(d, stamp, trace, k, last);
      DroppedOut(d, s, b);
      LosersStayOut(d, stamp, trace, k, last, a, b);
    }
  }

  lemma {:induction false} ReachedOrDropped(d: Dag, s: Scan, b: Hash)
    requires d.Stored() && ScanOk(d, s) && b in d.blocks && b != d.gen && Refs(d.blocks[b]) <= s.Done()
    ensures b in s.Done() || b in s.ready || b in s.dropped
  {
    hide Dag.Stored, LocksOk, ReadyOk, TopsOk, Refs;
  }

  lemma {:induction false} DroppedOut(d: Dag, s: Scan, b: Hash)
    requires d.Stored() && ScanOk(d, s)
    ensures b in s.dropped ==> b !in s.Done()
  {
    hide Dag.Stored, LocksOk, ReadyOk, TopsOk;
  }

  // When nothing is ready any more, every chosen block has been processed, and every block left
  // out was dropped for a chosen one or refers, directly or not, to a dropped block.
  lemma {:induction false} LeftOut(d: Dag, s: Scan, c: Hash)
    requires d.Stored() && ScanOk(d, s) && s.ready == {} && c in d.blocks && c !in s.Done()
    ensures s.best <= s.Done()
    ensures exists x <- s.dropped :: d.Reaches(c, x) && Outweighed(d, s.Done(), x)
    decreases d.born[c]
  {
    if c in s.dropped {
      assert Outweighed(d, s.best, c);
      assert d.Reaches(c, c);
    } else {
      var r :| r in Refs(d.blocks[c]) && r !in s.Done();
      assert d.Shaped(d.blocks[c]) && d.OlderRefs(c);
      var i := RefIndex(d.blocks[c], r);
      LeftOut(d, s, r);
      var x :| x in s.dropped && d.Reaches(r, x) && Outweighed(d, s.Done(), x);
      assert d.Reaches(c, x);
    }
  }

  lemma {:induction false} LastIsTop(d: Dag, order: seq<Hash>, i: nat)
    requires forall h <- order :: h in d.blocks
    ensures LastOf(d, order, i) == d.gen
            || (LastOf(d, order, i) in order && LastOf(d, order, i) in d.blocks && d.blocks[LastOf(d, order, i)].shard == i)
  {
    if order != [] {
      var rest := order[..|order| - 1];
      assert forall h <- rest :: h in order;
      LastIsTop(d, rest, i);
    }
  }

  // How often h occurs among the references of a block.
  function Times(subs: seq<SubBlock>, h: Hash): nat {
    if subs == [] then 0 else Times(subs[..|subs| - 1], h) + (if subs[|subs| - 1].remote == h then 1 else 0)
  }

  // How many references of a block are not processed yet.
  function Missing(subs: seq<SubBlock>, done: set<Hash>): nat {
    if subs == [] then 0 else Missing(subs[..|subs| - 1], done) + (if subs[|subs| - 1].remote in done then 0 else 1)
  }

  lemma {:induction false} MissingStep(subs: seq<SubBlock>, done: set<Hash>, h: Hash)
    requires h !in done
    ensures Missing(subs, done) == Missing(subs, done + {h}) + Times(subs, h)
  {
    if subs != [] {
      MissingStep(subs[..|subs| - 1], done, h);
    }
  }

  lemma {:induction false} MissingNone(subs: seq<SubBlock>, done: set<Hash>)
    ensures Missing(subs, done) == 0 <==> forall s <- subs :: s.remote in done
    ensures Missing(subs, {}) == |subs|
  {
    if subs != [] {
      var rest := subs[..|subs| - 1];
      MissingNone(rest, done);
      assert subs == rest + [subs[|subs| - 1]];
    }
  }

  lemma {:induction false} TimesNone(subs: seq<SubBlock>, h: Hash)
    ensures Times(subs, h) == 0 <==> forall s <- subs :: s.remote != h
  {
    if subs != [] {
      var rest := subs[..|subs| - 1];
      TimesNone(rest, h);
      assert subs == rest + [subs[|subs| - 1]];
    }
  }

  // refs lists, for every block, the blocks that refer to it, once per reference.
  ghost predicate RefsAgree(d: Dag, refs: map<Hash, seq<Hash>>) {
    forall h, c :: multiset(At(refs, h))[c] == if c in d.blocks && c != d.gen then Times(d.blocks[c].subs, h) else 0
  }

  // The local variables of the scan.
  datatype Work = Work(Bs: set<Hash>, refCnt: map<Hash, int>, top: seq<Hash>, order: seq<Hash>,
                       LockMap: set<Hash>, Removeable: set<Hash>)

  ghost predicate CountsAgree(d: Dag, refCnt: map<Hash, int>, done: set<Hash>) {
    && d.blocks.Keys <= refCnt.Keys
    && forall c <- d.blocks | c != d.gen :: refCnt[c] == Missing(d.blocks[c].subs, done)
  }

  ghost predicate Tracks(d: Dag, w: Work, s: Scan) {
    && w.Bs == d.blocks.Keys - s.Done() && w.top == s.top && w.order == s.order
    && w.LockMap == s.locked && w.Removeable == s.ready
    && CountsAgree(d, w.refCnt, s.Done())
  }

  lemma {:induction false} ReleasedByCount(d: Dag, done: set<Hash>, h: Hash, cs: seq<Hash>, refCnt: map<Hash, int>)
    requires h !in done && CountsAgree(d, refCnt, done + {h})
    requires forall c :: multiset(cs)[c] == if c in d.blocks && c != d.gen then Times(d.blocks[c].subs, h) else 0
    ensures Released(d, done, h) == set c | c in cs && c in refCnt && refCnt[c] == 0
  {
    forall c ensures c in Released(d, done, h) <==> c in cs && c in refCnt && refCnt[c] == 0 {
      assert c in cs <==> multiset(cs)[c] > 0;
      if c in d.blocks && c != d.gen {
        TimesNone(d.blocks[c].subs, h);
        MissingNone(d.blocks[c].subs, done + {h});
      }
    }
  }

  // The counts when the first k of the listed references are counted down.
  ghost predicate PartlyDown(d: Dag, done: set<Hash>, cs: seq<Hash>, k: nat, refCnt: map<Hash, int>, released: set<Hash>) {
    && k <= |cs| && d.blocks.Keys <= refCnt.Keys
    && (forall c <- d.blocks | c != d.gen :: refCnt[c] == Missing(d.blocks[c].subs, done) - multiset(cs[..k])[c])
    && released == set c | c in cs[..k] && c in refCnt && refCnt[c] == 0
  }

  lemma {:induction false} NoneDown(d: Dag, done: set<Hash>, cs: seq<Hash>, refCnt: map<Hash, int>)
    requires CountsAgree(d, refCnt, done)
    ensures PartlyDown(d, done, cs, 0, refCnt, {})
  {}

  // Counting one reference of a block down, and picking the block up when none is left.
  lemma {:induction false} OneDown(d: Dag, done: set<Hash>, h: Hash, cs: seq<Hash>, k: nat, refCnt: map<Hash, int>, released: set<Hash>)
    requires h !in done && k < |cs| && PartlyDown(d, done, cs, k, refCnt, released)
    requires forall c :: multiset(cs)[c] == if c in d.blocks && c != d.gen then Times(d.blocks[c].subs, h) else 0
    ensures cs[k] in refCnt
    ensures PartlyDown(d, done, cs, k + 1, refCnt[cs[k] := refCnt[cs[k]] - 1],
                       if refCnt[cs[k]] == 1 then released + {cs[k]} else released)
  {
    hide Missing, Times;
    var c, cnt' := cs[k], refCnt[cs[k] := refCnt[cs[k]] - 1];
    Listed(cs, k);
    assert multiset(cs)[c] > 0;
    assert c in d.blocks && c != d.gen;
    MissingStep(d.blocks[c].subs, done, h);
    assert refCnt[c] >= 1;
    var released' := if refCnt[c] == 1 then released + {c} else released;
    forall x ensures x in released' <==> x in cs[..k + 1] && x in cnt' && cnt'[x] == 0 {
      assert x in cs[..k + 1] <==> x in cs[..k] || x == c;
    }
  }

  lemma {:induction false} Listed(cs: seq<Hash>, k: nat)
    requires k < |cs|
    ensures cs[..k + 1] == cs[..k] + [cs[k]]
    ensures forall x :: multiset(cs[..k + 1])[x] == multiset(cs[..k])[x] + (if x == cs[k] then 1 else 0)
    ensures multiset(cs)[cs[k]] > multiset(cs[..k])[cs[k]]
  {
    assert cs[..k + 1] == cs[..k] + [cs[k]];
    assert cs == cs[..k + 1] + cs[k + 1..];
  }

  lemma {:induction false} AllDown(d: Dag, done: set<Hash>, h: Hash, cs: seq<Hash>, refCnt: map<Hash, int>, released: set<Hash>)
    requires h !in done && PartlyDown(d, done, cs, |cs|, refCnt, released)
    requires forall c :: multiset(cs)[c] == if c in d.blocks && c != d.gen then Times(d.blocks[c].subs, h) else 0
    ensures CountsAgree(d, refCnt, done + {h}) && released == Released(d, done, h)
  {
    assert cs[..|cs|] == cs;
    forall c | c in d.blocks && c != d.gen ensures refCnt[c] == Missing(d.blocks[c].subs, done + {h}) {
      MissingStep(d.blocks[c].subs, done, h);
    }
    ReleasedByCount(d, done, h, cs, refCnt);
  }
}
