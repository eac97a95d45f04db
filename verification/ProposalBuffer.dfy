/** The proposal queue of a consensus engine (Proposals/ProposalBuffer.go): a 1-indexed binary
    min-heap over priorities, with a threshold above which nothing is popped. */
module ProposalBuffer {
  import opened Content
  import opened Transactions

  // The request type is kept as the bytes of its string.
  datatype Proposal = Proposal(reqType: Bytes, vars: seq<Bytes>)

  // The unused slot 0.
  const NIL := Proposal([], [])

  const LOWEST_PRIORITY := 1024
  const NORMAL_PRIORITY := 128
  const NOW := 64
  const CROSS_PRIORITY := 32
  const CROSS_COMMIT_PRIORITY := CROSS_PRIORITY - 1

  // A request type without a registered priority has priority 0.
  function Prio(priority: map<Bytes, int>, p: Proposal): int {
    if p.reqType in priority then priority[p.reqType] else 0
  }

  // No proposal is more urgent than its father.
  predicate HeapOrder(pros: seq<Proposal>, priority: map<Bytes, int>) {
    |pros| >= 1 && forall k | 2 <= k < |pros| :: Prio(priority, pros[k / 2]) <= Prio(priority, pros[k])
  }

  function Contents(pros: seq<Proposal>): multiset<Proposal>
    requires |pros| >= 1
  {
    multiset(pros[1..])
  }

  // The first slot of a heap holds a most urgent proposal.
  lemma {:induction false} RootIsLeast(pros: seq<Proposal>, priority: map<Bytes, int>, k: nat)
    requires HeapOrder(pros, priority) && 1 <= k < |pros|
    ensures Prio(priority, pros[1]) <= Prio(priority, pros[k])
    decreases k
  {
    if k >= 2 {
      RootIsLeast(pros, priority, k / 2);
    }
  }

  lemma {:induction false} LeastOfContents(pros: seq<Proposal>, priority: map<Bytes, int>, p: Proposal)
    requires HeapOrder(pros, priority) && p in Contents(pros)
    ensures |pros| > 1 && Prio(priority, pros[1]) <= Prio(priority, p)
  {
    var j :| 0 <= j < |pros[1..]| && pros[1..][j] == p;
    RootIsLeast(pros, priority, j + 1);
  }

  function Swapped(pros: seq<Proposal>, i: nat, j: nat): seq<Proposal>
    requires i < |pros| && j < |pros|
  {
    pros[i := pros[j]][j := pros[i]]
  }

  lemma {:induction false} SwapKeepsContents(pros: seq<Proposal>, i: nat, j: nat)
    requires 1 <= i < |pros| && 1 <= j < |pros|
    ensures Contents(Swapped(pros, i, j)) == Contents(pros)
  {
    var s := pros[1..];
    var a, b := s[i - 1], s[j - 1];
    var u := s[i - 1 := b];
    assert Swapped(pros, i, j)[1..] == u[j - 1 := a];
    assert multiset(u) == multiset(s) - multiset{a} + multiset{b};
    assert multiset(u[j - 1 := a]) == multiset(u) - multiset{b} + multiset{a};
  }

  // The heap order holds except possibly between hole and its father; hole's children respect
  // its father.
  predicate RisingAt(pros: seq<Proposal>, priority: map<Bytes, int>, hole: nat) {
    && 1 <= hole < |pros|
    && (forall k | 2 <= k < |pros| && k != hole :: Prio(priority, pros[k / 2]) <= Prio(priority, pros[k]))
    && (hole >= 2 ==> forall k | 2 <= k < |pros| && k / 2 == hole :: Prio(priority, pros[hole / 2]) <= Prio(priority, pros[k]))
  }

  // The heap order holds except possibly between hole and its children; they respect its father.
  predicate SinkingAt(pros: seq<Proposal>, priority: map<Bytes, int>, hole: nat) {
    && 1 <= hole && |pros| >= 1
    && (forall k | 2 <= k < |pros| && k / 2 != hole :: Prio(priority, pros[k / 2]) <= Prio(priority, pros[k]))
    && (2 <= hole < |pros| ==> forall k | 2 <= k < |pros| && k / 2 == hole :: Prio(priority, pros[hole / 2]) <= Prio(priority, pros[k]))
  }

  lemma {:induction false} RiseOnce(pros: seq<Proposal>, priority: map<Bytes, int>, hole: nat)
    requires RisingAt(pros, priority, hole) && hole >= 2
    requires Prio(priority, pros[hole]) < Prio(priority, pros[hole / 2])
    ensures RisingAt(Swapped(pros, hole, hole / 2), priority, hole / 2)
  {
    var s, f := Swapped(pros, hole, hole / 2), hole / 2;
    forall k | 2 <= k < |s| && k != f ensures Prio(priority, s[k / 2]) <= Prio(priority, s[k]) {
      if k == hole {
      } else if k / 2 == hole {
        assert s[k] == pros[k] && s[k / 2] == pros[f];
      } else if k / 2 == f {
        assert s[k] == pros[k] && s[k / 2] == pros[hole];
      } else {
        assert s[k] == pros[k] && s[k / 2] == pros[k / 2];
      }
    }
    if f >= 2 {
      forall k | 2 <= k < |s| && k / 2 == f ensures Prio(priority, s[f / 2]) <= Prio(priority, s[k]) {
        assert s[f / 2] == pros[f / 2] && Prio(priority, pros[f / 2]) <= Prio(priority, pros[f]);
        if k != hole {
          assert s[k] == pros[k] && Prio(priority, pros[k / 2]) <= Prio(priority, pros[k]);
        }
      }
    }
  }

  lemma {:induction false} SinkOnce(pros: seq<Proposal>, priority: map<Bytes, int>, hole: nat, c: nat)
    requires SinkingAt(pros, priority, hole) && 2 <= c < |pros| && c / 2 == hole
    requires Prio(priority, pros[c]) < Prio(priority, pros[hole])
    requires forall k | 2 <= k < |pros| && k / 2 == hole :: Prio(priority, pros[c]) <= Prio(priority, pros[k])
    ensures SinkingAt(Swapped(pros, c, hole), priority, c)
  {
    var s := Swapped(pros, c, hole);
    forall k | 2 <= k < |s| && k / 2 != c ensures Prio(priority, s[k / 2]) <= Prio(priority, s[k]) {
      if k == hole {
        assert s[hole] == pros[c] && s[hole / 2] == pros[hole / 2];
      } else if k == c {
      } else if k / 2 == hole {
        assert s[k] == pros[k] && s[hole] == pros[c];
      } else {
        assert s[k] == pros[k] && s[k / 2] == pros[k / 2];
      }
    }
    forall k | 2 <= k < |s| && k / 2 == c ensures Prio(priority, s[c / 2]) <= Prio(priority, s[k]) {
      assert s[k] == pros[k] && s[c / 2] == pros[c];
      assert Prio(priority, pros[k / 2]) <= Prio(priority, pros[k]);
    }
  }

  // The children of slot i are slots 2i and 2i + 1.
  lemma {:induction false} ChildSlots(i: nat, k: nat)
    requires k / 2 == i
    ensures k == 2 * i || k == 2 * i + 1
  {}

  class ProposalBuffer {
    var pros: seq<Proposal>
    var priority: map<Bytes, int>
    var priorThreshold: int

    ghost predicate Valid()
      reads this
    {
      HeapOrder(pros, priority)
    }

    constructor ()
      ensures Valid() && Contents(pros) == multiset{} && priority == map[] && priorThreshold == LOWEST_PRIORITY
    {
      pros, priority, priorThreshold := [NIL], map[], LOWEST_PRIORITY;
    }

    // The queue is not rearranged: the heap survives if no queued proposal changes its priority.
    method SetPriority(reqType: Bytes, pri: int)
      modifies this`priority
      ensures priority == old(priority)[reqType := pri]
      ensures old(Valid()) && (forall k | 1 <= k < |pros| :: pros[k].reqType != reqType) ==> Valid()
    {
      priority := priority[reqType := pri];
    }

    method SetThreshold(threshold: int)
      requires Valid()
      modifies this`priorThreshold
      ensures Valid() && priorThreshold == threshold
    {
      priorThreshold := threshold;
    }

    method Amount() returns (n: nat)
      requires Valid()
      ensures n == |Contents(pros)|
    {
      n := |pros| - 1;
    }

    method Push(x: Proposal)
      requires Valid()
      modifies this`pros
      ensures Valid() && Contents(pros) == old(Contents(pros)) + multiset{x}
    {
      pros := pros + [x];
      assert pros[1..] == old(pros)[1..] + [x];
      var currIndex: nat := |pros| - 1;
      while currIndex != 1
        invariant 1 <= currIndex && RisingAt(pros, priority, currIndex)
        invariant Contents(pros) == old(Contents(pros)) + multiset{x}
        decreases currIndex
      {
        var father := currIndex / 2;
        if Prio(priority, pros[currIndex]) < Prio(priority, pros[father]) {
          RiseOnce(pros, priority, currIndex);
          SwapKeepsContents(pros, currIndex, father);
          pros := Swapped(pros, currIndex, father);
          currIndex := father;
        } else {
          break;
        }
      }
    }

    // The most urgent proposal, unless it is held back by the threshold.
    method Pop() returns (ret: Option<Proposal>)
      requires Valid()
      modifies this`pros
      ensures Valid()
      ensures ret == None <==> forall p <- old(Contents(pros)) :: Prio(priority, p) > priorThreshold
      ensures ret == None ==> pros == old(pros)
      ensures ret.Some? ==>
                && ret.value in old(Contents(pros)) && Contents(pros) == old(Contents(pros)) - multiset{ret.value}
                && Prio(priority, ret.value) <= priorThreshold
                && forall p <- old(Contents(pros)) :: Prio(priority, ret.value) <= Prio(priority, p)
    {
      if |pros| == 1 {
        return None;
      }
      forall p | p in Contents(pros) ensures Prio(priority, pros[1]) <= Prio(priority, p) {
        LeastOfContents(pros, priority, p);
      }
      var least := pros[1];
      assert least == pros[1..][0];
      if Prio(priority, least) > priorThreshold {
        return None;
      }
      RemoveRoot(pros, priority);
      pros := pros[1 := pros[|pros| - 1]];
      pros := pros[..|pros| - 1];
      Sink();
      return Some(least);
    }

    // The sift-down loop of Pop.
    method Sink()
      requires SinkingAt(pros, priority, 1)
      modifies this`pros
      ensures Valid() && Contents(pros) == old(Contents(pros))
    {
      var index := 1;
      while true
        invariant SinkingAt(pros, priority, index)
        invariant Contents(pros) == old(Contents(pros)) && |pros| == |old(pros)|
        decreases |pros| - index
      {
        var l, r := index * 2, index * 2 + 1;
        var temp := l;
        forall k | 2 <= k < |pros| && k / 2 == index ensures k == l || k == r {
          ChildSlots(index, k);
        }
        if r >= |pros| {
          if l >= |pros| {
            break;
          }
        } else if Prio(priority, pros[r]) < Prio(priority, pros[l]) {
          temp := r;
        }
        if Prio(priority, pros[temp]) < Prio(priority, pros[index]) {
          SinkOnce(pros, priority, index, temp);
          SwapKeepsContents(pros, temp, index);
          pros := Swapped(pros, temp, index);
          index := temp;
        } else {
          break;
        }
      }
    }
  }

  // Overwriting the root with the last proposal and dropping the last slot removes the root, and
  // leaves a heap but for the root.
  lemma {:induction false} RemoveRoot(pros: seq<Proposal>, priority: map<Bytes, int>)
    requires HeapOrder(pros, priority) && |pros| > 1
    ensures var s := pros[1 := pros[|pros| - 1]][..|pros| - 1];
            SinkingAt(s, priority, 1) && Contents(s) == Contents(pros) - multiset{pros[1]}
  {
    var n := |pros| - 1;
    var s := pros[1 := pros[n]][..n];
    if n == 1 {
      assert pros[1..] == [pros[1]];
      assert s[1..] == [];
    } else {
      assert pros[1..] == [pros[1]] + pros[2..n] + [pros[n]];
      assert s[1..] == [pros[n]] + pros[2..n];
    }
  }
}
